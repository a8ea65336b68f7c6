/** The outcome classes of one request on Fleet's local socket. */
module FleetClient {
  import opened Options

  /** The type of a request or of a successful response. */
  datatype RequestKind = Capabilities | Apply | Inspect

  datatype ResponseKind = KindOf(kind: RequestKind) | ErrorKind | UnknownKind

  /** A response document, as far as its classification reads it. */
  datatype Envelope = Envelope(
    schemaMatches: bool, kind: ResponseKind, ok: bool, hasResult: bool, hasError: bool, invalidRequest: bool)

  datatype ClientError = Unavailable | ResponseLost | ProtocolRejected | Protocol | FrameTooLarge

  datatype ApplyError = ApplyUnavailable | RejectedBeforeSend | ApplyRejected | Ambiguous

  datatype Reply<+E> = Success | Failure(error: E)

  /** How far a round trip gets. A timeout can strike before or after any byte of
   *  the request is written. */
  datatype Course =
    | Oversized
    | ConnectFails
    | TimedOut(wrote: bool)
    | BreaksWhileWriting
    | BreaksWhileReading
    | BadFrameLength
    | UnreadableResponse
    | Responds(envelope: Envelope, decodes: bool)

  /** Whether any byte of the request may have reached Fleet. */
  predicate MayHaveWritten(c: Course) {
    match c
    case Oversized => false
    case ConnectFails => false
    case TimedOut(wrote) => wrote
    case _ => true
  }

  /** `ResponseEnvelope::result_for`. */
  function ResultFor(e: Envelope, expected: RequestKind): Reply<ClientError> {
    if !e.schemaMatches then Failure(Protocol)
    else if !e.ok && e.kind == ErrorKind && e.hasError && e.invalidRequest && !e.hasResult
    then Failure(ProtocolRejected)
    else if e.ok && e.kind == KindOf(expected) && !e.hasError
    then (if e.hasResult then Success else Failure(Protocol))
    else Failure(Protocol)
  }

  function RoundTrip(c: Course, expected: RequestKind): Reply<ClientError> {
    match c
    case Oversized => Failure(FrameTooLarge)
    case ConnectFails => Failure(Unavailable)
    case TimedOut(_) => Failure(ResponseLost)
    case BreaksWhileWriting => Failure(ResponseLost)
    case BreaksWhileReading => Failure(ResponseLost)
    case BadFrameLength => Failure(Protocol)
    case UnreadableResponse => Failure(Protocol)
    case Responds(e, _) => ResultFor(e, expected)
  }

  function MapApplyError(e: ClientError): ApplyError {
    match e
    case Unavailable => ApplyUnavailable
    case FrameTooLarge => RejectedBeforeSend
    case ProtocolRejected => ApplyRejected
    case ResponseLost => Ambiguous
    case Protocol => Ambiguous
  }

  /** `FleetClient::apply`. */
  function ApplyReply(c: Course): Reply<ApplyError> {
    match RoundTrip(c, Apply)
    case Failure(e) => Failure(MapApplyError(e))
    case Success => if c.Responds? && c.decodes then Success else Failure(Ambiguous)
  }

  /** The two replies after which no read-back follows. */
  predicate NothingSent(r: Reply<ApplyError>) {
    r == Failure(ApplyUnavailable) || r == Failure(RejectedBeforeSend)
  }

  /** `FleetClient::inspect`: whether an authoritative answer was read. */
  predicate InspectAnswered(c: Course) {
    RoundTrip(c, Inspect) == Success && c.Responds? && c.decodes
  }

  /** An apply is reported as not sent only when no byte of it was written, and
   *  always when it was too large or the connection was refused. */
  lemma NotSentMeansNotWritten(c: Course)
    ensures NothingSent(ApplyReply(c)) <==> c == Oversized || c == ConnectFails
    ensures NothingSent(ApplyReply(c)) ==> !MayHaveWritten(c)
  {
    if c.Responds? { assert ResultFor(c.envelope, Apply) != Failure(Unavailable); }
  }

  /** A response that succeeds: in the expected schema and of the expected kind, marked
   *  ok, with a result and without an error. */
  predicate Succeeds(e: Envelope, kind: RequestKind) {
    e.schemaMatches && e.ok && e.kind == KindOf(kind) && e.hasResult && !e.hasError
  }

  /** A rejection: an error document about the request, and nothing else. */
  predicate Rejects(e: Envelope) {
    e.schemaMatches && !e.ok && e.kind == ErrorKind && e.hasError && e.invalidRequest && !e.hasResult
  }

  /** An apply is reported as done exactly when a success was read and decoded, as
   *  rejected exactly when a rejection was read, as not sent exactly when it was too large
   *  or the connection was refused; whatever else happened, it may have been applied. */
  lemma ApplyExactly(c: Course)
    ensures var r := ApplyReply(c);
            && (r == Success <==> c.Responds? && Succeeds(c.envelope, Apply) && c.decodes)
            && (r == Failure(ApplyRejected) <==> c.Responds? && Rejects(c.envelope))
            && (r == Failure(ApplyUnavailable) <==> c == ConnectFails)
            && (r == Failure(RejectedBeforeSend) <==> c == Oversized)
            && (r == Failure(Ambiguous) ==> c.TimedOut? || MayHaveWritten(c))
  {
  }

  /** An inspection is answered exactly when a success was read and decoded. */
  lemma InspectExactly(c: Course)
    ensures InspectAnswered(c) <==> c.Responds? && Succeeds(c.envelope, Inspect) && c.decodes
  {
  }
}
