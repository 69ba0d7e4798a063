/** The event consumer: persist, forward upstream, persist the outcome, publish, acknowledge. */
module Consumer {
  import opened Domain
  import opened Rows
  import opened Text
  import opened Worlds
  import S = Store

  /** A decoded event payload value. */
  datatype Value = Text(text: string) | List(items: seq<Value>) | Scalar

  type Payload = map<string, Value>

  const SUBMITTED_EVENT := "plugin.silo.ebooks.request_submitted"
  const NO_METADATA := "title or isbn required to request a download"
  const TARGET_KEYS := ["target_plugin_id", "target_provider_plugin_id", "provider_plugin_id"]

  /** A type-asserted string field: absent or of another type reads as empty. */
  function StringField(p: Payload, key: string): string {
    if key in p && p[key].Text? then p[key].text else ""
  }

  /** trimmedStringValue: None when the key is absent, empty when it is not a string. */
  function TrimmedValue(p: Payload, key: string): Option<string> {
    if key !in p then None
    else if p[key].Text? then Some(TrimSpace(p[key].text))
    else Some("")
  }

  function FirstTarget(p: Payload, keys: seq<string>): Option<string> {
    if keys == [] then None
    else
      var v := TrimmedValue(p, keys[0]);
      if v.Some? then v else FirstTarget(p, keys[1..])
  }

  function TargetPluginId(p: Payload): Option<string> {
    FirstTarget(p, TARGET_KEYS)
  }

  function RequestId(p: Payload): string {
    var id := StringField(p, "request_id");
    if id != "" then id else StringField(p, "requestId")
  }

  /** What the protocol needs to know of an event. */
  datatype Message = Message(id: string, targeted: bool, complete: bool)

  function Digest(p: Payload, pluginId: string): Message {
    Message(RequestId(p),
            TargetPluginId(p) == Some(pluginId),
            StringField(p, "title") != "" || StringField(p, "isbn") != "")
  }

  /** The key at place i is the first that is there, and its value, trimmed if a text, names the plugin. */
  ghost predicate DecidesAt(p: Payload, keys: seq<string>, pluginId: string, i: nat) {
    && i < |keys| && (forall j :: 0 <= j < i ==> keys[j] !in p)
    && keys[i] in p && (if p[keys[i]].Text? then TrimSpace(p[keys[i]].text) else "") == pluginId
  }

  lemma DecidesLater(p: Payload, key: string, rest: seq<string>, pluginId: string, i: nat)
    requires key !in p
    ensures DecidesAt(p, [key] + rest, pluginId, i + 1) <==> DecidesAt(p, rest, pluginId, i)
  {
    hide TrimSpace;
    assert forall j :: 0 <= j < |rest| ==> ([key] + rest)[j + 1] == rest[j];
    assert ([key] + rest)[0] == key;
    assert DecidesAt(p, [key] + rest, pluginId, i + 1) ==> forall j :: 0 <= j < i ==> rest[j] !in p by {
      if DecidesAt(p, [key] + rest, pluginId, i + 1) {
        forall j | 0 <= j < i ensures rest[j] !in p {
          assert ([key] + rest)[j + 1] !in p;
        }
      }
    }
  }

  /** The event is ours exactly when the first target key that is present, whatever its type, names us. */
  lemma {:induction false} FirstTargetDecides(p: Payload, keys: seq<string>, pluginId: string)
    ensures FirstTarget(p, keys) == Some(pluginId) <==> exists i: nat :: DecidesAt(p, keys, pluginId, i)
  {
    hide TrimSpace, DecidesAt;
    if keys == [] {
      NobodyDecides(p, pluginId);
    } else if keys[0] in p {
      FirstDecides(p, keys, pluginId);
    } else {
      var key, rest := keys[0], keys[1..];
      assert keys == [key] + rest;
      FirstTargetDecides(p, rest, pluginId);
      if i: nat :| DecidesAt(p, rest, pluginId, i) {
        DecidesLater(p, key, rest, pluginId, i);
      } else if i: nat :| DecidesAt(p, keys, pluginId, i) {
        NotTheFirst(p, keys, pluginId, i);
        DecidesLater(p, key, rest, pluginId, i - 1);
      }
    }
  }

  lemma NobodyDecides(p: Payload, pluginId: string)
    ensures forall i: nat :: !DecidesAt(p, [], pluginId, i)
  {
  }

  lemma FirstDecides(p: Payload, keys: seq<string>, pluginId: string)
    requires keys != [] && keys[0] in p
    ensures forall i: nat :: DecidesAt(p, keys, pluginId, i) ==> i == 0
    ensures DecidesAt(p, keys, pluginId, 0) <==> TrimmedValue(p, keys[0]) == Some(pluginId)
  {
    hide TrimSpace;
  }

  lemma NotTheFirst(p: Payload, keys: seq<string>, pluginId: string, i: nat)
    requires keys != [] && keys[0] !in p && DecidesAt(p, keys, pluginId, i)
    ensures i > 0
  {
  }

  /** The environment of one delivery: which statements fault, what the upstream answers, the clock. */
  datatype Delivery = Delivery(submitFails: bool, answer: Answer, outcomeFails: bool, at: Time, doneAt: Time)

  function Submission(id: string, at: Time): ForwardedRequest {
    ForwardedRequest(id, "", Submitted, ZERO_TIME, "", ZERO_TIME, at)
  }

  function Failure(id: string, reason: string, at: Time): ForwardedRequest {
    ForwardedRequest(id, "", Failed, ZERO_TIME, reason, ZERO_TIME, at)
  }

  function Acknowledgement(id: string, externalId: string, at: Time): ForwardedRequest {
    ForwardedRequest(id, externalId, Acknowledged, ZERO_TIME, "", ZERO_TIME, at)
  }

  function ReasonOf(a: Answer): ErrorText
    requires !a.Success?
  {
    if a.Limited? then a.limitText else a.errText
  }

  /** The write and the event that record the upstream's answer. */
  function Outcome(id: string, a: Answer, at: Time): (ForwardedRequest, Event) {
    if a.Success? then (Acknowledgement(id, a.id, at), RequestAcknowledged(id, a.id))
    else (Failure(id, ReasonOf(a), at), RequestFailed(id, ReasonOf(a)))
  }

  function Persist(w: World, r: ForwardedRequest, now: Time): World {
    w.(table := Upserted(w.table, r, now))
  }

  function Announce(w: World, e: Event): World {
    w.(events := w.events + [e])
  }

  /** One whole delivery of a message; the flag says whether it is acknowledged. */
  function Handle(w: World, m: Message, d: Delivery): (World, bool) {
    if !m.targeted || m.id == "" then (w, true)
    else if d.submitFails then (w, false)
    else
      var w1 := Persist(w, Submission(m.id, d.at), d.at);
      if !m.complete then
        var w2 := if d.outcomeFails then w1 else Persist(w1, Failure(m.id, NO_METADATA, d.doneAt), d.doneAt);
        (Announce(w2, RequestFailed(m.id, NO_METADATA)), true)
      else
        var w2 := w1.(calls := w1.calls + [AddCall(m.id)]);
        if d.outcomeFails then (w2, false)
        else
          var (write, event) := Outcome(m.id, d.answer, d.doneAt);
          (Announce(Persist(w2, write, d.doneAt), event), true)
  }

  /** The value of a target key: the text without the spaces around it, nothing for another type. */
  function Trimmed(v: Value): string {
    if v.Text? then TrimSpace(v.text) else ""
  }

  /** Of the three target keys the first that is there names the plugin. */
  ghost predicate Addressed(p: Payload, pluginId: string) {
    if "target_plugin_id" in p then Trimmed(p["target_plugin_id"]) == pluginId
    else if "target_provider_plugin_id" in p then Trimmed(p["target_provider_plugin_id"]) == pluginId
    else "provider_plugin_id" in p && Trimmed(p["provider_plugin_id"]) == pluginId
  }

  /** The key holds a text that is not empty. */
  ghost predicate Holds(p: Payload, key: string) {
    key in p && p[key].Text? && p[key].text != ""
  }

  lemma WhatDigestReads(p: Payload, pluginId: string)
    ensures var m := Digest(p, pluginId);
            && (m.targeted <==> Addressed(p, pluginId))
            && (Holds(p, "request_id") ==> m.id == p["request_id"].text)
            && (!Holds(p, "request_id") && Holds(p, "requestId") ==> m.id == p["requestId"].text)
            && (!Holds(p, "request_id") && !Holds(p, "requestId") ==> m.id == "")
            && (m.complete <==> Holds(p, "title") || Holds(p, "isbn"))
  {
    var k1, k2, k3 := "target_plugin_id", "target_provider_plugin_id", "provider_plugin_id";
    FirstTargetStep(p, k1, [k2, k3]);
    FirstTargetStep(p, k2, [k3]);
    FirstTargetStep(p, k3, []);
    assert TARGET_KEYS == [k1] + [k2, k3] && [k2, k3] == [k2] + [k3] && [k3] == [k3] + [];
  }

  lemma FirstTargetStep(p: Payload, key: string, rest: seq<string>)
    ensures FirstTarget(p, [key] + rest) == if key in p then Some(Trimmed(p[key])) else FirstTarget(p, rest)
  {
    assert ([key] + rest)[1..] == rest;
  }

  /** What becomes of a payload. An event of another plugin, or without an id, is acknowledged and changes
      nothing. One of ours is turned back, without a trace, when its row cannot be stored; it goes upstream
      if and only if the row was stored and it has a title or an ISBN. */
  lemma WhatPayloadsDo(w: World, p: Payload, pluginId: string, d: Delivery)
    ensures !Addressed(p, pluginId) || !(Holds(p, "request_id") || Holds(p, "requestId")) ==>
              Handle(w, Digest(p, pluginId), d) == (w, true)
    ensures Addressed(p, pluginId) && (Holds(p, "request_id") || Holds(p, "requestId")) ==>
              var id := if Holds(p, "request_id") then p["request_id"].text else p["requestId"].text;
              var (w', ack) := Handle(w, Digest(p, pluginId), d);
              && (d.submitFails ==> (w', ack) == (w, false))
              && (!d.submitFails ==>
                    && w'.table.Keys == w.table.Keys + {id}
                    && (forall x :: x in w.table && x != id ==> w'.table[x] == w.table[x])
                    && w'.calls == (if Holds(p, "title") || Holds(p, "isbn") then w.calls + [AddCall(id)] else w.calls)
                    && w'.lastError == w.lastError && w'.backoffUntil == w.backoffUntil
                    && (ack <==> !((Holds(p, "title") || Holds(p, "isbn")) && d.outcomeFails)))
  {
    hide Digest, Addressed, FirstTarget, UpsertRow;
    WhatDigestReads(p, pluginId);
  }

  /** What a delivery of ours writes and announces once its row is stored. A row that ended keeps its
      status; any other is left submitted when the outcome is lost, and else acknowledged with the job's id,
      or failed with the reason. What is acknowledged is announced with the same particulars. */
  lemma WhatDeliveriesWrite(w: World, m: Message, d: Delivery)
    requires m.targeted && m.id != "" && !d.submitFails
    ensures var (w', ack) := Handle(w, m, d);
            var ended := m.id in w.table && (w.table[m.id].status == Imported || w.table[m.id].status == Failed);
            var before := if m.id in w.table then w.table[m.id].externalId else None;
            var error := if m.id in w.table then w.table[m.id].errorText else None;
            var row := w'.table[m.id];
            && (ended ==> row.status == w.table[m.id].status)
            && row.lastPolled == (if m.id in w.table then w.table[m.id].lastPolled else None)
            && (d.outcomeFails ==>
                  && (!ended ==> row.status == Submitted)
                  && row.externalId == before && row.errorText == error && row.updatedAt == d.at)
            && (!d.outcomeFails && m.complete && d.answer.Success? ==>
                  && (!ended ==> row.status == Acknowledged)
                  && row.externalId == (if d.answer.id != "" then Some(d.answer.id) else before)
                  && row.errorText == error
                  && w'.events == w.events + [RequestAcknowledged(m.id, d.answer.id)])
            && (!d.outcomeFails && m.complete && d.answer.Limited? ==>
                  && (!ended ==> row.status == Failed) && row.externalId == before
                  && row.errorText == Some(d.answer.limitText)
                  && w'.events == w.events + [RequestFailed(m.id, d.answer.limitText)])
            && (!d.outcomeFails && m.complete && d.answer.Refused? ==>
                  && (!ended ==> row.status == Failed) && row.externalId == before
                  && row.errorText == Some(d.answer.errText)
                  && w'.events == w.events + [RequestFailed(m.id, d.answer.errText)])
            && (!m.complete ==>
                  && (!d.outcomeFails ==>
                        && (!ended ==> row.status == Failed) && row.externalId == before
                        && row.errorText == Some("title or isbn required to request a download"))
                  && w'.events == w.events + [RequestFailed(m.id, "title or isbn required to request a download")])
            && (m.complete && d.outcomeFails ==> w'.events == w.events)
            && (!d.outcomeFails && d.doneAt != 0 ==> row.updatedAt == d.doneAt)
            && row.createdAt == (if m.id in w.table then w.table[m.id].createdAt else d.at)
  {
  }

  /** The reconciler can bring the request to an end, or it already ended. */
  predicate Settled(t: Table, id: string) {
    id in t && (Terminal(t[id].status) || t[id].externalId.Some?)
  }

  predicate Blank(a: Answer) {
    a.Success? && a.id == ""
  }

  /** An acknowledged delivery of a complete request leaves the row settled, unless the upstream
      accepted it without naming a job and nothing had settled the row before; and exactly then. */
  lemma AcknowledgedIsSettled(w: World, m: Message, d: Delivery)
    requires m.targeted && m.id != "" && m.complete
    requires Handle(w, m, d).1
    ensures Settled(Handle(w, m, d).0.table, m.id) <==> !Blank(d.answer) || Settled(w.table, m.id)
  {
    var w1 := Persist(w, Submission(m.id, d.at), d.at);
    assert Settled(w1.table, m.id) <==> Settled(w.table, m.id);
  }

  /** A delivery that is not acknowledged has lost nothing: it published nothing, the row keeps its
      job and its terminal status, and the upstream was asked only for a row that exists. */
  lemma NackedLosesNothing(w: World, m: Message, d: Delivery)
    requires !Handle(w, m, d).1
    ensures var w' := Handle(w, m, d).0;
            && w'.events == w.events
            && (Settled(w.table, m.id) ==> Settled(w'.table, m.id))
            && (w'.calls != w.calls ==> w'.calls == w.calls + [AddCall(m.id)] && m.id in w'.table)
            && (forall id :: id != m.id ==> Lookup(w'.table, id) == Lookup(w.table, id))
  {
    if d.submitFails {
      assert Handle(w, m, d).0 == w;
    } else {
      var w1 := Persist(w, Submission(m.id, d.at), d.at);
      assert Handle(w, m, d).0.table == w1.table;
    }
  }

  /** Every acknowledged delivery of one of our requests publishes exactly one event for it, a replay
      on a row that ended long ago included. */
  lemma AcknowledgedPublishes(w: World, m: Message, d: Delivery)
    requires m.targeted && m.id != "" && Handle(w, m, d).1
    ensures var events := Handle(w, m, d).0.events;
            && |events| == |w.events| + 1 && events[..|w.events|] == w.events
            && events[|w.events|].id == m.id
            && (events[|w.events|].RequestAcknowledged? <==> m.complete && d.answer.Success?)
  {
  }

  class Deps {
    const store: S.Store?
    const pub: Publisher
    const ebk: Upstream?
    const pluginId: string

    constructor (store: S.Store?, pub: Publisher, ebk: Upstream?, pluginId: string)
      ensures this.store == store && this.pub == pub && this.ebk == ebk && this.pluginId == pluginId
    {
      this.store, this.pub, this.ebk, this.pluginId := store, pub, ebk, pluginId;
    }

    ghost predicate Ready() {
      store != null && ebk != null
    }

    ghost function View(): World
      requires Ready()
      reads store, pub, ebk
    {
      World(store.table, pub.events, ebk.calls, map[], ZERO_TIME)
    }

    ghost function Objects(): set<object?> {
      {store, pub, ebk}
    }
  }

  class Handler {
    var deps: Deps?

    constructor (deps: Deps?)
      ensures this.deps == deps
    {
      this.deps := deps;
    }

    /** HandleEvent: returns whether the event is acknowledged. */
    method HandleEvent(eventName: string, payload: Option<Payload>, d: Delivery) returns (ack: bool)
      modifies if deps == null then {} else deps.Objects()
      ensures deps == old(deps)
      ensures eventName != "plugin.silo.ebooks.request_submitted" || payload.None? ==> ack
      ensures eventName != "plugin.silo.ebooks.request_submitted" && deps != null && deps.Ready() ==>
                deps.View() == old(deps.View())
      ensures eventName == "plugin.silo.ebooks.request_submitted" && payload.Some? && deps != null && deps.Ready()
              && (!Addressed(payload.value, deps.pluginId)
                  || !(Holds(payload.value, "request_id") || Holds(payload.value, "requestId"))) ==>
                ack && deps.View() == old(deps.View())
      ensures eventName == SUBMITTED_EVENT && payload.Some? && (deps == null || !deps.Ready()) ==> !ack
      ensures deps != null && deps.Ready() ==>
                if eventName != SUBMITTED_EVENT || payload.None? then deps.View() == old(deps.View())
                else (deps.View(), ack) == Handle(old(deps.View()), Digest(payload.value, deps.pluginId), d)
    {
      if eventName != SUBMITTED_EVENT {
        return true;
      }
      if payload.None? {
        return true;
      }
      if deps == null {
        return false;
      }
      var store, ebk := deps.store, deps.ebk;
      if store == null || ebk == null {
        return false;
      }
      var p := payload.value;
      var target := TargetPluginId(p);
      WhatDigestReads(p, deps.pluginId);
      if target.None? || target.value != deps.pluginId {
        return true;
      }
      var id := RequestId(p);
      if id == "" {
        return true;
      }
      var title, isbn := StringField(p, "title"), StringField(p, "isbn");

      var err := store.UpsertForwardedRequest(Submission(id, d.at), d.at, d.submitFails);
      if err.Some? {
        return false;
      }
      if title == "" && isbn == "" {
        var _ := store.UpsertForwardedRequest(Failure(id, NO_METADATA, d.doneAt), d.doneAt, d.outcomeFails);
        deps.pub.Publish(RequestFailed(id, NO_METADATA));
        return true;
      }
      var answer := ebk.Send(AddCall(id), d.answer);
      if !answer.Success? {
        var reason := ReasonOf(answer);
        var uerr := store.UpsertForwardedRequest(Failure(id, reason, d.doneAt), d.doneAt, d.outcomeFails);
        if uerr.Some? {
          return false;
        }
        deps.pub.Publish(RequestFailed(id, reason));
        return true;
      }
      var uerr := store.UpsertForwardedRequest(Acknowledgement(id, answer.id, d.doneAt), d.doneAt, d.outcomeFails);
      if uerr.Some? {
        return false;
      }
      deps.pub.Publish(RequestAcknowledged(id, answer.id));
      ack := true;
    }
  }
}
