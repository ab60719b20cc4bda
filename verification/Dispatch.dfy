/** How one try against a destination is classified, over HTTP or over a tunnel. */
module Dispatch {
  import opened Options
  import opened Store

  /** int32(code): the column keeps the low 32 bits. */
  function ToInt32(n: int): int {
    var m := n % 0x1_0000_0000;
    if m >= 0x8000_0000 then m - 0x1_0000_0000 else m
  }

  predicate FitsInt32(n: int) { -0x8000_0000 <= n < 0x8000_0000 }

  predicate IsSuccess(code: int) { 200 <= code < 300 }

  predicate IsRetryable(code: int) { code == 408 || code == 429 || code >= 500 }

  function FromCode(code: int): AttemptResult {
    AttemptResult(Some(ToInt32(code)), IsSuccess(code), !IsSuccess(code) && IsRetryable(code))
  }

  /** An HTTP try: a URL no request can be built for, no response at all, or a status code. */
  datatype HttpTry = BadUrl | NoResponse | Response(code: int)

  function ClassifyHttp(x: HttpTry): AttemptResult {
    match x
    case BadUrl => AttemptResult(None, false, false)
    case NoResponse => AttemptResult(None, false, true)
    case Response(code) => FromCode(code)
  }

  /** A tunnel try: no socket, an event that cannot be loaded or decoded, a failed Deliver, or an ack. */
  datatype TunnelTry = NotConnected | EventUnreadable | BadHeaders | DeliverFailed | AckError | AckCode(code: int)

  function ClassifyTunnel(x: TunnelTry): AttemptResult {
    match x
    case NotConnected => AttemptResult(None, false, false)
    case EventUnreadable => AttemptResult(None, false, true)
    case BadHeaders => AttemptResult(None, false, false)
    case DeliverFailed => AttemptResult(None, false, false)
    case AckError => AttemptResult(None, false, false)
    case AckCode(code) => FromCode(code)
  }

  datatype Try = Http(h: HttpTry) | OverTunnel(x: TunnelTry)

  function Classify(x: Try): AttemptResult {
    match x
    case Http(h) => ClassifyHttp(h)
    case OverTunnel(y) => ClassifyTunnel(y)
  }

  /** The code a try answered with, if it answered. */
  function CodeOf(x: Try): Option<int> {
    match x
    case Http(Response(code)) => Some(code)
    case OverTunnel(AckCode(code)) => Some(code)
    case _ => None
  }

  predicate CodeFits(x: Try) { CodeOf(x).None? || FitsInt32(CodeOf(x).value) }

  /** The stored code tells the outcome: whether the try succeeded and, if not, whether it is retried. A try without a
      code did not succeed. */
  predicate Truthful(r: AttemptResult) {
    match r.code
    case None => !r.succeeded
    case Some(code) =>
      && (r.succeeded <==> IsSuccess(code))
      && (!r.succeeded ==> (r.retryable <==> IsRetryable(code)))
  }

  /** The code fits the column, or the 32 bits kept of a larger code are a retryable code too, or those kept of a
      smaller one are a negative number or a terminal code. */
  predicate CodeTells(x: Try) {
    match CodeOf(x)
    case None => true
    case Some(code) =>
      var low := code % 0x1_0000_0000;
      || FitsInt32(code)
      || (code > 0 && low < 0x8000_0000 && IsRetryable(low))
      || (code < 0 && (low >= 0x8000_0000 || (!IsSuccess(low) && !IsRetryable(low))))
  }

  /** Exactly when the stored code tells the outcome. */
  lemma TruthfulIff(x: Try)
    ensures Truthful(Classify(x)) <==> CodeTells(x)
  {}

  /** A stored code tells the outcome whenever the answered code fits the column. */
  lemma FittingCodesAreTruthful(x: Try)
    requires CodeFits(x)
    ensures CodeTells(x) && Truthful(Classify(x))
  {}

  /** Otherwise it can lie, about success or about retrying: 2^32 + 200 is a retryable failure stored as 200, and
      500 - 2^32 is a terminal failure stored as 500. */
  lemma WideCodeLies()
    ensures var r := Classify(OverTunnel(AckCode(0x1_0000_00C8)));
            r.code == Some(200) && !r.succeeded && r.retryable && !Truthful(r)
    ensures var r := Classify(OverTunnel(AckCode(500 - 0x1_0000_0000)));
            r.code == Some(500) && !r.succeeded && !r.retryable && !Truthful(r)
  {}

  /** Maps an attempt's outcome to a delivery status. */
  function DeliveryStatus(r: AttemptResult, attempt: int, maxAttempts: int): Status {
    if r.succeeded then Succeeded
    else if !r.retryable then DeadLettered
    else if attempt >= maxAttempts then DeadLettered
    else Failed
  }

  /** What the worker returns once the attempt is recorded. */
  function ReturnFor(r: AttemptResult): Return {
    if r.succeeded then Done else if !r.retryable then Cancel else Error
  }
}
