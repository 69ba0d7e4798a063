/** The vocabulary shared by every component: rows of the forwarded_request
    table, the Go record that is written to and read from it, the events the
    plugin publishes, and what an upstream call can answer. */
module Domain {

  datatype Option<+T> = None | Some(value: T)

  /** Nanoseconds since 0001-01-01 00:00:00. Zero is both Go's zero time and
      the epoch literal that the polling order coalesces a NULL stamp to. */
  type Time = int

  const ZERO_TIME: Time := 0

  /** A clock reading: never the zero time. */
  type Instant = t: Time | t > ZERO_TIME witness 1

  const SECOND: int := 1_000_000_000

  /** What the lifecycle writes to the status column. */
  const LIFECYCLE_TEXTS :=
    {"submitted", "acknowledged", "searching", "found", "downloading", "imported", "failed"}

  type OtherText = s: string | s !in LIFECYCLE_TEXTS witness ""

  /** The text of the status column: the seven lifecycle names, or any other text. */
  datatype Status =
    | Submitted
    | Acknowledged
    | Searching
    | Found
    | Downloading
    | Imported
    | Failed
    | Other(text: OtherText)

  predicate Terminal(s: Status) {
    s.Imported? || s.Failed?
  }

  predicate Lifecycle(s: Status) {
    !s.Other?
  }

  /** A table row; None stands for NULL. */
  datatype Row = Row(
    externalId: Option<string>,
    status: Status,
    lastPolled: Option<Time>,
    errorText: Option<string>,
    createdAt: Time,
    updatedAt: Time)

  /** The table, keyed by its primary key request_id. */
  type Table = map<string, Row>

  /** The Go struct: NULL is the empty string or the zero time. */
  datatype ForwardedRequest = ForwardedRequest(
    requestId: string,
    externalId: string,
    status: Status,
    lastPolled: Time,
    errorText: string,
    createdAt: Time,
    updatedAt: Time)

  /** Text of an upstream error; every error the client builds has a fixed prefix. */
  type ErrorText = s: string | s != "" witness "error"

  datatype Event =
    | RequestAcknowledged(id: string, externalId: string)
    | RequestStatusChanged(id: string, externalId: string, status: Status)
    | RequestFulfilled(id: string, externalId: string, bookId: string)
    | RequestFailed(id: string, reason: string)

  predicate TerminalEvent(e: Event) {
    e.RequestFulfilled? || e.RequestFailed?
  }

  /** What a monitoring call returns: a decoded response, a rate limit, or any other error. */
  datatype Answer =
    | Success(id: string, upstream: string, bookId: string)
    | Limited(retryAfter: int, limitText: ErrorText)
    | Refused(errText: ErrorText)

  /** Calls made to the upstream. */
  datatype Call =
    | AddCall(id: string)
    | PollCall(id: string, externalId: string, at: Time)

  function Lookup(t: Table, id: string): Option<Row> {
    if id in t then Some(t[id]) else None
  }

  function NonEmpty(s: string): Option<string> {
    if s == "" then None else Some(s)
  }

  function NonZero(t: Time): Option<Time> {
    if t == ZERO_TIME then None else Some(t)
  }

  function Coalesce<T>(first: Option<T>, second: Option<T>): Option<T> {
    if first.Some? then first else second
  }

  function GetOr<T>(o: Option<T>, default: T): T {
    if o.Some? then o.value else default
  }
}
