/** The state that whole calls of the consumer and the reconciler act on. */
module Worlds {
  import opened Domain

  /** The table, the events published so far, the upstream calls made so far, and the memory of
      the one Reconciler: its error cache and the end of its backoff window. */
  datatype World = World(
    table: Table,
    events: seq<Event>,
    calls: seq<Call>,
    lastError: map<string, ErrorText>,
    backoffUntil: Time)

  const INIT := World(map[], [], [], map[], ZERO_TIME)

  /** The event publisher; the log is the sequence of Publish calls. */
  class Publisher {
    var events: seq<Event>

    constructor ()
      ensures events == []
    {
      events := [];
    }

    method Publish(e: Event)
      modifies this
      ensures events == old(events) + [e]
    {
      events := events + [e];
    }
  }

  /** The upstream client as the plugin sees it: calls go out, answers come from the environment. */
  class Upstream {
    var calls: seq<Call>

    constructor ()
      ensures calls == []
    {
      calls := [];
    }

    method Send(c: Call, answer: Answer) returns (a: Answer)
      modifies this
      ensures calls == old(calls) + [c] && a == answer
    {
      calls := calls + [c];
      a := answer;
    }
  }
}
