/** The upstream client: which replies count as an answer, and how long a rate
    limit parks the reconciler. */
module Client {
  import opened Domain
  import opened Numerals
  import opened Text

  /** A JSON body's four monitoring fields (absent ones are empty), or a body that is not JSON. */
  datatype Body = Malformed | Fields(requestId: string, id: string, status: string, bookId: string)

  /** What the transport delivers. `date` is the time left until the Retry-After header read as an
      HTTP-date, when it is one; `text` is the message an error built from this reply carries. */
  datatype Reply =
    | Broken(text: ErrorText)
    | Http(code: int, retryAfter: string, date: Option<int>, body: Body, text: ErrorText)

  /** parseRetryAfter, with the multiplication of a Duration by time.Second in 64 bits. */
  function ParseRetryAfter(header: string, date: Option<int>): int {
    var h := TrimSpace(header);
    if h == "" then 0
    else
      var n := Atoi(h);
      if n.Some? && n.value >= 0 then Wrap64(n.value * SECOND)
      else if date.Some? && date.value >= 0 then date.value
      else 0
  }

  /** decodeMonitoring. */
  function DecodeMonitoring(body: Body, text: ErrorText): Answer {
    match body
    case Malformed => Refused(text)
    case Fields(requestId, id, status, bookId) =>
      var chosen := if requestId == "" then id else requestId;
      if chosen == "" && status == "" then Refused(text) else Success(chosen, status, bookId)
  }

  /** Get and PostJSON followed by the decoder: AddMonitoring and GetMonitoring. */
  function Interpret(reply: Reply): Answer {
    match reply
    case Broken(text) => Refused(text)
    case Http(code, retryAfter, date, body, text) =>
      if code == 429 then Limited(ParseRetryAfter(retryAfter, date), text)
      else if code >= 400 then Refused(text)
      else DecodeMonitoring(body, text)
  }

  /** An answer carries no upstream id exactly when the reply had a status and neither id: such a
      status-only reply is accepted all the same. */
  lemma AnswersWithoutId(reply: Reply)
    ensures Interpret(reply).Success? && Interpret(reply).id == ""
            <==> reply.Http? && reply.code < 400 && reply.body.Fields?
                 && reply.body.requestId == "" && reply.body.id == "" && reply.body.status != ""
    ensures Interpret(reply).Limited? <==> reply.Http? && reply.code == 429
  {
    match reply
    case Broken(_) =>
    case Http(_, _, _, body, _) =>
      match body
      case Malformed =>
      case Fields(_, _, _, _) =>
  }

  /** Every reply and what becomes of it. An answer is a decodable body below 400 with an id or a status;
      it carries the body's status and book, and the request id unless only the other id is there. 429 is a
      rate limit with the delay of its header. All else is refused with the reply's text. */
  lemma WhatRepliesMean(reply: Reply)
    ensures Interpret(reply).Success? <==>
              && reply.Http? && reply.code < 400 && reply.body.Fields?
              && (reply.body.requestId != "" || reply.body.id != "" || reply.body.status != "")
    ensures Interpret(reply).Success? ==>
              && Interpret(reply).upstream == reply.body.status && Interpret(reply).bookId == reply.body.bookId
              && (reply.body.requestId != "" ==> Interpret(reply).id == reply.body.requestId)
              && (reply.body.requestId == "" ==> Interpret(reply).id == reply.body.id)
    ensures Interpret(reply).Limited? <==> reply.Http? && reply.code == 429
    ensures Interpret(reply).Limited? ==>
              && Interpret(reply).retryAfter == ParseRetryAfter(reply.retryAfter, reply.date)
              && Interpret(reply).limitText == reply.text
    ensures Interpret(reply).Refused? ==> Interpret(reply).errText == reply.text
  {
  }

  /** How a Retry-After header is read: a number that is not negative is seconds, and exact while they fit
      64 bits of nanoseconds; any other is a date, if it is one in the future. */
  lemma WhatRetryAfterMeans(header: string, date: Option<int>)
    ensures var n, d := Atoi(TrimSpace(header)), ParseRetryAfter(header, date);
            && (n.Some? && 0 <= n.value && n.value * SECOND < TWO_63 ==> d == n.value * SECOND)
            && (n.None? || n.value < 0 ==>
                  d == if TrimSpace(header) != "" && date.Some? && date.value > 0 then date.value else 0)
  {
    hide TrimSpace, Atoi;
    WhatAtoiAccepts(TrimSpace(header));
  }

  const DEFAULT_PARK: int := 60 * SECOND
  const MAX_PARK: int := 600 * SECOND

  /** The window setBackoff parks for. */
  function Clamped(retryAfter: int): (w: int)
    ensures 0 < w <= MAX_PARK
  {
    var d := if retryAfter <= 0 then DEFAULT_PARK else retryAfter;
    if d > MAX_PARK then MAX_PARK else d
  }

  /** The window a Retry-After of n delta-seconds asks for, within the plugin's default and cap. */
  function Requested(n: nat): int {
    if n == 0 then DEFAULT_PARK else if n > 600 then MAX_PARK else n * SECOND
  }

  /** A Retry-After header holding n delta-seconds (section 10.2.3 of RFC 9110). */
  function ParkOf(n: nat): int {
    Clamped(ParseRetryAfter(Decimal(n), None))
  }

  lemma ParseOfDecimal(n: nat)
    ensures ParseRetryAfter(Decimal(n), None) == if n < TWO_63 then Wrap64(n * SECOND) else 0
  {
    TrimSpaceKeeps(Decimal(n));
    AtoiOfDecimal(n);
  }

  /** The park is what the header asked for exactly when the product did not overflow 64 bits, or
      wrapped to something that is capped anyway. */
  lemma ParkIsRequested(n: nat)
    ensures 0 < ParkOf(n) <= MAX_PARK
    ensures ParkOf(n) == Requested(n)
            <==> n * SECOND < TWO_63 || (n < TWO_63 && Wrap64(n * SECOND) >= MAX_PARK)
  {
    ParseOfDecimal(n);
    WindowMeetsRequest(n, ParseRetryAfter(Decimal(n), None));
  }

  /** setBackoff parks for at least the time it is given exactly when that is within the cap. */
  lemma WindowIsEnough(d: int)
    ensures Clamped(d) >= d <==> d <= MAX_PARK
  {
  }

  /** A Retry-After of n delta-seconds is waited out exactly when n is at most 600: the cap cuts the
      longer ones short, and so does the 64-bit product when it wraps. */
  lemma ParkIsEnough(n: nat)
    ensures ParkOf(n) >= n * SECOND <==> n <= 600
  {
    ParseOfDecimal(n);
    WindowIsEnough(ParseRetryAfter(Decimal(n), None));
  }

  /** Without a delay the park is a minute, and none is longer than ten. */
  lemma WhatParksLast(d: int)
    ensures d <= 0 ==> Clamped(d) == 60_000_000_000
    ensures 0 < d <= 600_000_000_000 ==> Clamped(d) == d
    ensures d > 600_000_000_000 ==> Clamped(d) == 600_000_000_000
  {
  }

  lemma WindowMeetsRequest(n: nat, parsed: int)
    requires parsed == if n < TWO_63 then Wrap64(n * SECOND) else 0
    ensures Clamped(parsed) == Requested(n)
            <==> n * SECOND < TWO_63 || (n < TWO_63 && Wrap64(n * SECOND) >= MAX_PARK)
  {
  }

  /** The first delta-seconds value that wraps: a wait of 292 years parks for one minute. */
  lemma ParkWraps(n: nat)
    ensures n < 9_223_372_037 ==> ParkOf(n) == Requested(n)
    ensures n == 9_223_372_037 ==> ParkOf(n) == DEFAULT_PARK && Requested(n) == MAX_PARK
  {
    ParkIsRequested(n);
    if n == 9_223_372_037 {
      ParseOfDecimal(n);
      WrapIsNegative(n * SECOND);
    }
  }

  lemma WrapIsNegative(x: int)
    requires TWO_63 <= x < TWO_64
    ensures Wrap64(x) < 0
  {
  }
}
