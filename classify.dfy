/** What one probe of a site can return, how the site loop turns a failed request
    into a message, how a check is classified, and the text and rows it produces. */
module Classify {
  import opened PyFormat

  /** Which kind of `requests` exception a failed request raised. */
  datatype FailureKind = SSL | Connection | Other

  /** The outcome of one `requests.get`: a response with its status code and
      elapsed seconds, or a raised exception with its kind and its `str()`. */
  datatype Outcome =
    | Responded(code: int, elapsed: real)
    | TransportFailure(kind: FailureKind, detail: string)

  /** The exception classes named in the loop's `except` clauses, in the order they
      are written. `SSLError` is a subclass of `ConnectionError`, and both are
      subclasses of `RequestException`. */
  datatype Handler = CatchSSLError | CatchConnectionError | CatchRequestException

  const Handlers: seq<Handler> := [CatchSSLError, CatchConnectionError, CatchRequestException]

  /** `isinstance(e, h)` for an exception of kind `k`. */
  predicate Catches(h: Handler, k: FailureKind) {
    match h
    case CatchSSLError => k == SSL
    case CatchConnectionError => k == SSL || k == Connection
    case CatchRequestException => true
  }

  /** The first `except` clause of `hs` that catches an exception of kind `k`. */
  function FirstCatching(hs: seq<Handler>, k: FailureKind): (i: nat)
    requires CatchRequestException in hs
    ensures i < |hs| && Catches(hs[i], k)
    ensures forall j :: 0 <= j < i ==> !Catches(hs[j], k)
  {
    if Catches(hs[0], k) then 0 else 1 + FirstCatching(hs[1..], k)
  }

  /** The message each `except` clause assigns, given the exception's `str()`. */
  function HandlerMessage(h: Handler, detail: string): string {
    match h
    case CatchSSLError => "SSL error"
    case CatchConnectionError => "failed to connect"
    case CatchRequestException => "other failure: " + detail
  }

  /** The message recorded for a failed request: that of the first clause that catches it. */
  function FailureMessage(k: FailureKind, detail: string): (m: string)
    ensures k == SSL ==> m == "SSL error"
    ensures k == Connection ==> m == "failed to connect"
    ensures k == Other ==> m == "other failure: " + detail
  {
    HandlerMessage(Handlers[FirstCatching(Handlers, k)], detail)
  }

  /** An SSL error is also a connection error, so only the order of the clauses
      keeps it from being reported as "failed to connect". */
  lemma SslErrorCaughtFirst(detail: string)
    ensures Catches(CatchConnectionError, SSL)
    ensures FailureMessage(SSL, detail) != HandlerMessage(CatchConnectionError, detail)
  {
  }

  /** A check fails when there is no status code or the code is above 200. */
  predicate IsFailure(statusCode: Option<int>) {
    statusCode == None || statusCode.value > 200
  }

  /** The success threshold: exactly the codes up to and including 200 succeed. */
  lemma SuccessThreshold(code: int)
    ensures !IsFailure(Some(code)) <==> code <= 200
    ensures IsFailure(None)
  {
  }

  function AlertSubject(siteName: string): string {
    "site: " + siteName + " is down!"
  }

  function AlertBody(siteName: string, siteUrl: string, statusCode: Option<int>, message: Option<string>): string {
    siteName + " : " + siteUrl + "\nhas status: " + OptIntStr(statusCode) + "\nmessage: " + OptStr(message)
  }

  /** The alert body tells status codes apart: two alerts for the same site and
      message have the same body only when they report the same status. */
  lemma AlertBodyDeterminesStatus(siteName: string, siteUrl: string, c1: Option<int>, c2: Option<int>, message: Option<string>)
    ensures AlertBody(siteName, siteUrl, c1, message) == AlertBody(siteName, siteUrl, c2, message) ==> c1 == c2
  {
    var head := siteName + " : " + siteUrl + "\nhas status: ";
    var tail := "\nmessage: " + OptStr(message);
    var s1, s2 := OptIntStr(c1), OptIntStr(c2);
    assert AlertBody(siteName, siteUrl, c1, message) == head + s1 + tail;
    assert AlertBody(siteName, siteUrl, c2, message) == head + s2 + tail;
    if head + s1 + tail == head + s2 + tail {
      CancelAround(head, s1, s2, tail);
      OptIntStrInjective(c1, c2);
    }
  }

  /** Text between the same prefix and the same suffix is determined by the whole. */
  lemma CancelAround(head: string, x: string, y: string, tail: string)
    requires head + x + tail == head + y + tail
    ensures x == y
  {
    assert x == (head + x + tail)[|head|..|head| + |x|];
    assert y == (head + y + tail)[|head|..|head| + |y|];
  }

  /** A row of the `status` table. */
  datatype StatusRow = StatusRow(
    checkedDate: nat,
    siteName: string,
    siteUrl: string,
    statusCode: Option<int>,
    elapsed: Option<real>,
    message: Option<string>,
    success: bool)

  /** A row of the `message_sent` table. */
  datatype MessageRow = MessageRow(sentDate: nat, to: string, from: string, subject: string, message: string)

  /** A mail handed to the SMTP server. */
  datatype Mail = Mail(from: string, to: string, subject: string, body: string)

  /** The row `send_status` inserts for its arguments at clock reading `now`. */
  function StatusRowFor(now: nat, siteName: string, siteUrl: string, statusCode: Option<int>,
                        elapsed: Option<real>, message: Option<string>): (row: StatusRow)
    ensures row.success <==> statusCode.Some? && statusCode.value <= 200
    ensures row.success ==> row.message == message
    ensures !row.success ==> row.message == Some(AlertBody(siteName, siteUrl, statusCode, message))
    ensures row.checkedDate == now && row.siteName == siteName && row.siteUrl == siteUrl
    ensures row.statusCode == statusCode && row.elapsed == elapsed
  {
    var failed := IsFailure(statusCode);
    var stored := if failed then Some(AlertBody(siteName, siteUrl, statusCode, message)) else message;
    StatusRow(now, siteName, siteUrl, statusCode, elapsed, stored, !failed)
  }
}
