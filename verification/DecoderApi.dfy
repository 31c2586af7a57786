/** What the decoders share: their return codes, with the HTTP status of each, and message slices. */
module DecoderApi {

  /** A kafka message that points into a buffer. */
  datatype Slice = Slice(off: int, len: int)

  datatype DecoderErr =
    | Ok
    | BufferFull
    | InvalidRequest
    | UnknownTopic
    | UnknownPartition
    | MsgTooLarge
    | HttpMethodNotAllowed
    | ResourceNotFound
    | MemoryError
    | GenericError

  /** Errors that the sender of a request can avoid. */
  predicate ClientError(rc: DecoderErr) {
    rc !in {Ok, BufferFull, MemoryError, GenericError}
  }

  /**
   decoder_err2http. Only `Ok` gives 200, and no code gives 0, which marks "nothing queued". The sender's
   errors are 4xx, the server's 5xx, and those with an HTTP status of their own have it.
   */
  function HttpStatus(rc: DecoderErr): (code: nat)
    ensures code == 200 <==> rc == Ok
    ensures 400 <= code < 500 <==> ClientError(rc)
    ensures rc != Ok && !ClientError(rc) ==> 500 <= code < 600
    ensures code == 405 <==> rc == HttpMethodNotAllowed
    ensures code == 404 <==> rc == ResourceNotFound
    ensures code == 413 <==> rc == MsgTooLarge
    ensures code == 503 <==> rc == BufferFull
    ensures code == 500 <==> rc == MemoryError || rc == GenericError
    ensures code in {200, 400, 404, 405, 413, 500, 503}
  {
    match rc
    case Ok => 200
    case BufferFull => 503
    case InvalidRequest => 400
    case UnknownTopic => 400
    case UnknownPartition => 400
    case MsgTooLarge => 413
    case HttpMethodNotAllowed => 405
    case ResourceNotFound => 404
    case MemoryError => 500
    case GenericError => 500
  }
}
